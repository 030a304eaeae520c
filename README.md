# Finance dashboard statement pipeline, in Dafny

This project models the backend of a personal-finance dashboard. Users upload
bank statements as CSV, Excel, PDF or JSON. The backend turns every row,
line or object into a canonical transaction (date, description, signed
amount, category, income/expense type). It files each transaction under a
fixed two-level chart of accounts by keyword search, and aggregates the
transactions into an income statement with a per-category breakdown, a
simplified balance sheet and a simplified cash-flow statement.

The backend holds two copies of this pipeline, and both are modelled:

- `App` models the module-level functions of the web service: `parse_amount`,
  `categorize_transaction`, `extract_transaction`, the CSV and Excel
  filter-maps, `generate_reports`, and the `/process` handler, which turns a
  batch of uploads into per-file statuses, a summary and the reports.
- `Processor` models the `FinancialProcessor` class as a Dafny `class`. It
  covers suffix dispatch, the CSV/Excel/PDF/JSON readers' loops, the PDF
  line parser and its copy of `parse_amount`.

The shared logic has its own modules:

- `Text`: Python's `lower`, `in`, `replace`, `strip`, `split` and
  `endswith` on strings.
- `Decimal`: `float()` on decimal text, and `str()` on integers.
- `Values`: raw cell values, records, transactions, and what the foreign
  readers return.
- `Taxonomy`: the chart of accounts and the first-match categoriser.
- `Extraction`: the amount scan over a record's fields, the description and
  date lookups, and the filter-map over rows.
- `Reporting`: the breakdown fold over insertion-ordered dicts, and the
  derived statements.
- `Regex` and `PdfLine`: a backtracking matcher for the two statement-line
  regular expressions, and the line parser built on it.
- `Seqs`: small lemmas about sequence slicing and concatenation.

The two copies of `parse_amount` differ:

- The web-service copy deletes ',', '₹', '$' and '€'.
- The class copy deletes ',', the three-character mis-decoded rupee sign
  'â‚¹' (UTF-8 bytes of '₹' read as Windows-1252) and '$', so "₹500" and
  "€500" give 0 there.
- `Processor.KeptSignIsZero`, `Processor.MisencodedRupeeRemoved` and
  `Processor.CopiesAgree` state the difference and where the copies agree.

The copies also use different placeholders for a missing description:
"Unknown Transaction" and "Unknown".

Key classification is plain substring search on the lower-cased key, tried
as amount, then debit, then credit. So a "Description" column counts as
credit-like, because "description" contains "cr"; when it comes before the
amount column it decides the scan. When its text is not a number, the row
is dropped (`Extraction.DescriptionKeyIsCredit`,
`Extraction.DescriptionFirstDropsRow`). This is how the code behaves as
written, and the model keeps it.

Modelling choices:

- Amounts are exact `real`s.
- Python dicts are association lists that keep insertion order, because the
  breakdown's order is visible in the response.
- The foreign readers (`pd.read_csv`, `pd.read_excel`, `pdfplumber`,
  `json.loads`) are not modelled. Their outcome is an input: a `Content`
  record holds, for each reader, the records, page texts or JSON document it
  returns, or the message of the exception it raises.
- The PDF and JSON paths are imperative methods on the class, proved
  against specification functions. The properties are proved about those
  functions: results are typed, pages and files concatenate, a blank page
  contributes nothing, and JSON objects are read exactly as spreadsheet
  rows.

## Model

| member | source | states |
|---|---|---|
| Text.Lower | finance_dashboard/backend/processor.py:92 | lower-casing keeps the length of the text |
| Text.ContainsIffOccurs | finance_dashboard/backend/processor.py:93 | the left-to-right scan behind `term in key_lower` succeeds exactly when the term occurs at some index |
| Text.ContainsAt | finance_dashboard/backend/processor.py:162 | a keyword laid out at some index of the description is found |
| Text.NotContainsPair | finance_dashboard/backend/processor.py:96 | a two-letter term such as "dr" is absent when no occurrence of its first letter is followed by its second |
| Text.NotContainsMissingChar | finance_dashboard/backend/processor.py:93 | a term holding a character the key lacks is not found |
| Text.RemoveAll | finance_dashboard/backend/processor.py:152 | `replace(pat, '')` never lengthens the text |
| Text.RemoveAbsent | finance_dashboard/backend/processor.py:152 | removing a pattern that does not occur leaves the text unchanged |
| Text.RemoveCharSpec | finance_dashboard/backend/app.py:62 | removing a one-character pattern deletes every copy of it and keeps the count of every other character |
| Text.RemoveCharConcat | finance_dashboard/backend/app.py:62 | removing one character distributes over concatenation |
| Text.RemoveCharStep | finance_dashboard/backend/app.py:62 | removing a character handles the first character, then the rest |
| Text.RemoveCharSplice | finance_dashboard/backend/app.py:62 | removing a character from a text with one extra character spliced in |
| Text.RemoveEach | finance_dashboard/backend/app.py:62 | chained removals never lengthen the text |
| Text.RemoveEachThree | finance_dashboard/backend/processor.py:152 | three chained removals are the three `replace` calls in turn |
| Text.RemoveEachFour | finance_dashboard/backend/app.py:62 | four chained removals are the four `replace` calls in turn |
| Text.RemoveEachSpec | finance_dashboard/backend/app.py:62 | chained one-character removals delete every copy of those characters and keep every other character's count |
| Text.RemoveEachAbsent | finance_dashboard/backend/app.py:62 | removals of characters that do not occur leave the text unchanged |
| Text.RemoveEachSplice | finance_dashboard/backend/app.py:62 | a removed character spliced in anywhere is gone, whatever the other removals do |
| Text.LeadLen | finance_dashboard/backend/app.py:62 | the count of leading whitespace fits in the text |
| Text.TrailLen | finance_dashboard/backend/app.py:62 | the count of trailing whitespace fits in the text |
| Text.TrimStartSpec | finance_dashboard/backend/app.py:62 | trimming the start drops exactly a leading run of whitespace, and what remains does not start with whitespace |
| Text.TrimEndSpec | finance_dashboard/backend/app.py:62 | trimming the end drops exactly a trailing run of whitespace, and what remains does not end with whitespace |
| Text.StripSpec | finance_dashboard/backend/processor.py:129 | `strip()` yields a slice with only whitespace on either side, neither starting nor ending with whitespace |
| Text.StripEnds | finance_dashboard/backend/app.py:62 | trimming the end of a text that does not start with whitespace leaves a result that does not start with it either |
| Text.StripUnpadded | finance_dashboard/backend/processor.py:129 | a text without surrounding whitespace is left unchanged |
| Text.Split | finance_dashboard/backend/processor.py:69 | `split('\n')` always yields at least one piece |
| Text.SplitJoin | finance_dashboard/backend/processor.py:69 | joining the pieces with the separator gives back the page text, and no piece holds the separator |
| Decimal.Pow10 | finance_dashboard/backend/app.py:63 | the scale of a fraction is positive |
| Decimal.DotIndex | finance_dashboard/backend/app.py:63 | the index of the first '.', with no '.' before it |
| Decimal.NatDigits | finance_dashboard/backend/app.py:60-63 | the decimal text of a natural number is a non-empty run of digits |
| Decimal.NatDigitsValue | finance_dashboard/backend/app.py:60-63 | the digits of a natural number denote it |
| Decimal.DigitsHaveNoDot | finance_dashboard/backend/app.py:63 | a run of digits holds no '.' |
| Decimal.IntToStringParses | finance_dashboard/backend/app.py:60-63 | `float(str(n)) == n` for every integer |
| Decimal.NegativeTextParses | finance_dashboard/backend/app.py:63 | a '-' in front of the digits of a natural number parses to its negation |
| Decimal.NatDigitsParse | finance_dashboard/backend/app.py:63 | the digits of a natural number parse back to it |
| Decimal.PointNumberParses | finance_dashboard/backend/processor.py:130-132 | digits, '.', and a non-empty run of digits parse to a non-negative number |
| Decimal.BadLeadParses | finance_dashboard/backend/processor.py:152-154 | text starting with anything but a sign, a digit or '.' is rejected by `float` |
| Values.KindOf | finance_dashboard/backend/processor.py:115 | the type is income exactly when the amount is positive |
| Taxonomy.SearchSubsFirstMatch | finance_dashboard/backend/processor.py:161-163 | the inner loop returns the label of its first matching sub-category, or nothing when none matches |
| Taxonomy.SearchMainsFirstMatch | finance_dashboard/backend/processor.py:160-164 | the nested loops return the first matching label in chart order, or "uncategorized" |
| Taxonomy.CategorizeFirstMatch | finance_dashboard/backend/processor.py:157-164 | the category is the first chart entry (income before expenses, each in declaration order) with a keyword in the lower-cased description, or "uncategorized" |
| Taxonomy.SubEntriesAt | finance_dashboard/backend/processor.py:161-163 | each sub-category's label is `{main}_{sub}` with its keywords, in order |
| Taxonomy.IncomeLabels | finance_dashboard/backend/processor.py:12-17 | the four income labels in declaration order |
| Taxonomy.ExpenseLabels | finance_dashboard/backend/processor.py:18-26 | the seven expense labels in declaration order |
| Taxonomy.ChartLabels | finance_dashboard/backend/app.py:37-53 | the chart has eleven entries, labelled in order |
| Taxonomy.CategoryIsKnown | finance_dashboard/backend/app.py:67-74 | every category assigned is one of the eleven labels or "uncategorized" |
| Taxonomy.LabelsNotExpensePrefixed | finance_dashboard/backend/app.py:37-53 | no label starts with "expense_" |
| Extraction.Signed | finance_dashboard/backend/processor.py:93-101 | an amount key keeps the sign; a debit key gives `-abs`, never positive; a credit key gives `abs`, never negative |
| Extraction.FirstDeciding | finance_dashboard/backend/processor.py:90-101 | the scan stops at the first field with a key, a non-`None` value and a classified key; no earlier field qualifies |
| Extraction.FirstKeyed | finance_dashboard/backend/processor.py:105-106 | `next(...)` yields the `str` of the first keyed field's value, or the default when no key matches |
| Extraction.ExtractTransaction | finance_dashboard/backend/processor.py:87-116 | the loop with its `break`s computes the specification `Extract` |
| Extraction.ExtractSpec | finance_dashboard/backend/processor.py:102-116 | a record is dropped exactly when the resolved amount is 0; a kept one carries that amount, its type, description, date and category |
| Extraction.FirstDecidingPrefix | finance_dashboard/backend/processor.py:95 | fields after the deciding one do not move the scan |
| Extraction.LaterFieldsIgnored | finance_dashboard/backend/processor.py:95 | appending fields after the deciding one leaves the amount unchanged |
| Extraction.SignFollowsKey | finance_dashboard/backend/processor.py:96-101 | a debit-like key yields only expenses and a credit-like key only income |
| Extraction.NoTermOccurs | finance_dashboard/backend/processor.py:93 | a key lacking one character of every term matches none of them |
| Extraction.DescriptionKeyIsCredit | finance_dashboard/backend/processor.py:99 | a "Description" key is classified credit-like |
| Extraction.DescriptionNotDebit | finance_dashboard/backend/processor.py:96 | "description" contains no debit term |
| Extraction.NoDebitTerm | finance_dashboard/backend/processor.py:96 | a key without 'b' or 'w', and with no 'd' followed by 'r', holds none of the debit terms |
| Extraction.ValueDateKeyIsAmount | finance_dashboard/backend/processor.py:93 | a "Value Date" key is classified amount-like |
| Extraction.DebitAmountKeyIsAmount | finance_dashboard/backend/processor.py:93-96 | "Debit Amount" is amount-like, because the amount test runs first |
| Extraction.DescriptionFirstDropsRow | finance_dashboard/backend/processor.py:99-103 | a leading Description column whose text is not a number makes the row dropped |
| Extraction.ExtractAll | finance_dashboard/backend/app.py:107 | the filter-map keeps at most one transaction per row |
| Extraction.ExtractAllAppend | finance_dashboard/backend/app.py:107 | the filter-map over two batches of rows is the concatenation of the two results |
| Extraction.ExtractAllFromRows | finance_dashboard/backend/app.py:107 | every kept transaction is what one of the rows yields |
| Extraction.ExtractAllNonZero | finance_dashboard/backend/app.py:107 | every kept transaction has a non-zero amount and is income exactly when it is positive |
| Extraction.ExtractAllCount | finance_dashboard/backend/app.py:107 | when no row is dropped, there is one transaction per row |
| Reporting.KeysCons | finance_dashboard/backend/processor.py:174 | the keys of a dict with one more entry in front |
| Reporting.UniqueCons | finance_dashboard/backend/processor.py:174 | one more entry in front keeps keys unique exactly when its key is new |
| Reporting.PutKeys | finance_dashboard/backend/processor.py:174 | `d[k] = v` keeps keys unique and adds `k` |
| Reporting.PutValues | finance_dashboard/backend/processor.py:174-176 | `d[k] = v` changes only `k`'s value, and moves the sum of values by the difference |
| Reporting.GetAbsent | finance_dashboard/backend/processor.py:174 | `d.get(k, 0)` is 0 for an absent key |
| Reporting.PutAbsent | finance_dashboard/backend/processor.py:199 | writing an absent key appends it at the end |
| Reporting.MergeDisjoint | finance_dashboard/backend/processor.py:199 | `{**a, **b}` over disjoint keys is `a`'s entries followed by `b`'s |
| Reporting.IncomeBreakdownSpec | finance_dashboard/backend/processor.py:169-178 | the income breakdown has unique keys, holds per category the sum of its positive amounts, and its values sum to the total income |
| Reporting.ExpenseBreakdownSpec | finance_dashboard/backend/processor.py:170-179 | the expense breakdown holds per category the sum of `abs` of its non-positive amounts, and its values sum to the total expenses |
| Reporting.IncomeKeys | finance_dashboard/backend/processor.py:171-174 | every income breakdown key is some transaction's category |
| Reporting.EntriesKeys | finance_dashboard/backend/processor.py:199 | the "expense_" entries keep unique keys, each prefixed by "expense_" |
| Reporting.ExpenseEntries | finance_dashboard/backend/processor.py:199 | each expense entry becomes `("expense_" + k, -v)`, in order |
| Reporting.BreakdownLayout | finance_dashboard/backend/processor.py:199 | when no category starts with "expense_", the breakdown is the income dict followed by the negated expense entries |
| Reporting.GenerateReports | finance_dashboard/backend/processor.py:166-212 | the loop computes the reports; totals are the sums of positive amounts and of `abs` of the others, and net income is the sum of all amounts |
| Reporting.NetIsAmountTotal | finance_dashboard/backend/processor.py:178-180 | income minus expenses is the sum of all amounts; both totals are non-negative |
| Reporting.ReportTotals | finance_dashboard/backend/app.py:124-125 | the reports carry the transactions and the three totals, as above |
| Reporting.DerivedStatements | finance_dashboard/backend/processor.py:183-191 | assets = 0.7·income, liabilities = 0.3·expenses, equity their difference; cash flow = net + 0.1·income + 0.1·expenses |
| Reporting.EmptyReports | finance_dashboard/backend/app.py:114-135 | with no transactions every figure is 0 and the breakdown is empty |
| Reporting.TotalsAdditive | finance_dashboard/backend/app.py:118-125 | the totals over a concatenation are the sums of the totals over its parts |
| Reporting.ReportsAdditive | finance_dashboard/backend/app.py:124-129 | every total and derived figure of a concatenation is the sum of those of its parts |
| Regex.Run | finance_dashboard/backend/processor.py:121-122 | the longest run of class characters from a position, ended by the text or a non-member |
| Regex.Avail | finance_dashboard/backend/processor.py:121-122 | the largest count a repeat may take stays inside the text |
| Regex.Up | finance_dashboard/backend/processor.py:121-122 | the counts a lazy repeat tries, shortest first, are exactly the range |
| Regex.Down | finance_dashboard/backend/processor.py:121-122 | the counts a greedy repeat tries, longest first, are exactly the range |
| Regex.Counts | finance_dashboard/backend/processor.py:121-122 | the counts tried are exactly those within the repeat's bounds and the available run |
| Regex.AvailFits | finance_dashboard/backend/processor.py:121-122 | every count tried covers a stretch the repeat accepts |
| Regex.AvailBounds | finance_dashboard/backend/processor.py:121-122 | no accepted stretch is longer than the available run |
| Regex.MatchAtSound | finance_dashboard/backend/processor.py:126 | what the backtracking matcher returns is a match |
| Regex.TryCountsSound | finance_dashboard/backend/processor.py:126 | trying counts in order returns only matches |
| Regex.MatchAtComplete | finance_dashboard/backend/processor.py:126 | when a match exists at a position, the matcher finds one |
| Regex.TryCountsComplete | finance_dashboard/backend/processor.py:126 | backtracking over the counts misses no match |
| Regex.SearchFrom | finance_dashboard/backend/processor.py:126 | a search result is a match at a position at or after the start |
| Regex.Search | finance_dashboard/backend/processor.py:126 | a `re.search` result is a match inside the text |
| Regex.SearchFromLeftmost | finance_dashboard/backend/processor.py:126 | the search finds nothing only when no position matches, and otherwise stops at the leftmost matching position |
| Regex.NoFitAt | finance_dashboard/backend/processor.py:126 | where the matcher fails at a position, the pattern matches nothing there |
| Regex.SearchHere | finance_dashboard/backend/processor.py:126 | a match at the current start is the search result |
| Regex.SearchSkip | finance_dashboard/backend/processor.py:126 | no match at a start inside the text moves the search to the next start |
| Regex.SearchEnd | finance_dashboard/backend/processor.py:126 | no match at the end of the text means the search finds nothing |
| Regex.SearchSpec | finance_dashboard/backend/processor.py:126-127 | `re.search` succeeds exactly when the pattern matches somewhere, at the leftmost matching start |
| Regex.FitsPiece | finance_dashboard/backend/processor.py:128-130 | each repeat of a match covers its own stretch of the line |
| Regex.FitsOrdered | finance_dashboard/backend/processor.py:128-130 | the stretches of a match are ordered and inside the line |
| Regex.CaptureSplit | finance_dashboard/backend/processor.py:128-130 | a group's text is the concatenation of its repeats' stretches |
| Regex.CaptureOne | finance_dashboard/backend/processor.py:128-130 | a one-repeat group holds between min and max characters of its class |
| PdfLine.Patterns | finance_dashboard/backend/processor.py:120-123 | both line patterns are well formed, with group 3 delimited |
| PdfLine.MoneyText | finance_dashboard/backend/processor.py:130 | a `[\d,]+\.\d{2}` match with commas removed is digits, '.', and exactly two digits |
| PdfLine.MoneyPieces | finance_dashboard/backend/processor.py:130 | figures, a point and two digits, with commas removed, are digits, '.', and exactly two digits |
| PdfLine.PointNumber | finance_dashboard/backend/processor.py:132 | such text is accepted by `float` and is non-negative |
| PdfLine.AmountUnsigned | finance_dashboard/backend/processor.py:130-132 | an unsigned money group always converts, to a non-negative amount |
| PdfLine.AmountSigned | finance_dashboard/backend/processor.py:130-132 | a money group with an optional '-' always converts; the '-' negates |
| PdfLine.PatternAShape | finance_dashboard/backend/processor.py:121 | the slash-date pattern's group 3 is the unsigned money token |
| PdfLine.PatternBShape | finance_dashboard/backend/processor.py:122 | the dash-date pattern's group 3 is the signed money token |
| PdfLine.AmountA | finance_dashboard/backend/processor.py:121-132 | every slash-date match converts, to a non-negative amount |
| PdfLine.AmountB | finance_dashboard/backend/processor.py:122-132 | every dash-date match converts |
| PdfLine.FromMatchTotal | finance_dashboard/backend/processor.py:131-142 | every match of either pattern yields a transaction: the `except ValueError` branch is never taken |
| PdfLine.ParseTwo | finance_dashboard/backend/processor.py:125-143 | the first pattern that matches decides, provided its matches always convert; no match gives `None` |
| PdfLine.ParseLineMatches | finance_dashboard/backend/processor.py:118-143 | a line yields a transaction exactly when one of the two patterns matches somewhere in it |
| PdfLine.FromMatchAmount | finance_dashboard/backend/processor.py:128-140 | a match yields a transaction exactly when its amount text converts, and carries that amount, the stripped description and the date |
| PdfLine.FirstDecides | finance_dashboard/backend/processor.py:125-140 | when the first pattern matches and converts, it decides, with that amount |
| PdfLine.SecondDecides | finance_dashboard/backend/processor.py:125-142 | when the first pattern matches nowhere, the second decides |
| PdfLine.ParseLinePrefersA | finance_dashboard/backend/processor.py:121-140 | a slash-date line is parsed by that pattern, and its amount is never negative |
| PdfLine.ParseLineFallsBack | finance_dashboard/backend/processor.py:122-140 | only when the slash-date pattern matches nowhere does the dash-date one decide |
| PdfLine.ParseWithFields | finance_dashboard/backend/processor.py:133-140 | a parsed line is income exactly when its amount is positive, and carries its description's category |
| App.SymbolsAreChars | finance_dashboard/backend/app.py:62 | the four removed symbols are single characters: ',', '₹', '$' and '€' |
| App.UnsymbolledSpec | finance_dashboard/backend/app.py:62 | the removals delete every symbol and keep every other character |
| App.CleanSpec | finance_dashboard/backend/app.py:62 | the text handed to `float` holds no symbol and has no surrounding whitespace |
| App.UnsymbolledSplice | finance_dashboard/backend/app.py:62 | a symbol spliced in anywhere is deleted |
| App.SymbolIgnored | finance_dashboard/backend/app.py:55-65 | currency symbols and separators anywhere in a string do not change the amount |
| App.IntTextAgrees | finance_dashboard/backend/app.py:57-63 | the text of an integer gives the same amount as the integer |
| App.NoSymbolsKept | finance_dashboard/backend/app.py:62 | a text without symbols is left unchanged |
| App.SymbolPrefixed | finance_dashboard/backend/app.py:62-63 | "€500", "$500", "₹500" and ",500" all give 500 |
| App.ExtractTransaction | finance_dashboard/backend/app.py:76-102 | the extractor with this copy's parser and chart; without a description key the description is "Unknown Transaction" |
| App.Batch | finance_dashboard/backend/app.py:170-188 | at most one status per upload |
| App.ProcessUpload | finance_dashboard/backend/app.py:173-188 | one upload: skipped without a filename; otherwise dispatched on the lower-cased suffix, with an "Unsupported file format" status or the reader's error |
| App.CollectFiles | finance_dashboard/backend/app.py:170-188 | the loop's statuses and transactions are those of the batch specification |
| App.ProcessFiles | finance_dashboard/backend/app.py:167-204 | the handler returns the specification `Process` |
| App.BatchStep | finance_dashboard/backend/app.py:172-188 | one iteration puts one file's contribution in front of the rest's |
| App.Recorded | finance_dashboard/backend/app.py:185-188 | appending one file's status and transactions, then the rest's, is the same as appending the combined contribution |
| App.BatchAppend | finance_dashboard/backend/app.py:172-188 | files are handled independently and in order: a batch's statuses and transactions concatenate over its parts |
| App.CombineAppend | finance_dashboard/backend/app.py:185-186 | one file's contribution in front commutes with appending later files' |
| App.BatchOne | finance_dashboard/backend/app.py:172-188 | a one-file batch is that file's contribution |
| App.NamelessSkipped | finance_dashboard/backend/app.py:173-174 | a file without a filename adds no status and no transactions |
| App.NamedRecorded | finance_dashboard/backend/app.py:175-188 | a named file adds exactly one status under its name; a failed one adds no transactions, a processed one exactly as many as it counts |
| App.UnsupportedRecorded | finance_dashboard/backend/app.py:182-184 | a name ending in none of .csv/.xlsx/.xls gets "Unsupported file format" and no transactions |
| App.RowsCategories | finance_dashboard/backend/app.py:104-112 | every transaction read from rows carries a chart label |
| App.BatchCategories | finance_dashboard/backend/app.py:172-188 | every transaction of a batch carries a chart label |
| App.ProcessSpec | finance_dashboard/backend/app.py:190-204 | the handler answers 400 exactly when no file yields a transaction; otherwise the summary counts the transactions and repeats the report totals |
| App.BreakdownSeparated | finance_dashboard/backend/app.py:132 | the response's breakdown lists income categories, then one "expense_" entry per expense category, none overwriting another |
| Processor.SeparatorsInTurn | finance_dashboard/backend/processor.py:152 | the removals are the three `replace` calls in turn |
| Processor.SeparatorsAbsent | finance_dashboard/backend/processor.py:152 | without ',', '$' or 'â' the removals leave the text unchanged |
| Processor.ProcessorRemovals | finance_dashboard/backend/processor.py:152 | without 'â' this copy deletes only ',' and '$' |
| Processor.AppRemovals | finance_dashboard/backend/app.py:62 | without '₹' and '€' the other copy also deletes only ',' and '$' |
| Processor.CopiesAgree | finance_dashboard/backend/processor.py:145-155 | the two `parse_amount` copies agree on every modelled value whose text holds none of '₹', '€', 'â'. List values are not modelled; see "## Left out" |
| Processor.KeptSignIsZero | finance_dashboard/backend/processor.py:152-155 | "€n" and "₹n" give 0 in this copy and n in the other |
| Processor.MisencodedPrefixRemoved | finance_dashboard/backend/processor.py:152 | the mis-decoded sign in front of digits is removed, leaving the digits |
| Processor.MisencodedRupeeRemoved | finance_dashboard/backend/processor.py:152-153 | "â‚¹n" gives n |
| Processor.RowsTyped | finance_dashboard/backend/processor.py:42-60 | rows yield transactions with non-zero amounts, typed by sign and labelled from the chart |
| Processor.LinesTyped | finance_dashboard/backend/processor.py:70-73 | statement lines yield transactions typed by sign and labelled from the chart |
| Processor.PdfTyped | finance_dashboard/backend/processor.py:62-74 | every PDF transaction is typed by sign and labelled from the chart |
| Processor.JsonTyped | finance_dashboard/backend/processor.py:76-85 | every JSON transaction is typed, labelled and non-zero |
| Processor.FileTyped | finance_dashboard/backend/processor.py:29-40 | whatever a successful read returns is typed and labelled; outside PDFs never zero |
| Processor.UnsupportedRaises | finance_dashboard/backend/processor.py:39-40 | a name with none of the five suffixes raises "Unsupported file format: " + name, whatever the content |
| Processor.ReaderErrorPassedOn | finance_dashboard/backend/processor.py:31-38 | for each of .csv, .xlsx/.xls, .pdf and .json, the reader the suffix selects decides, and its exception is passed on unchanged |
| Processor.SuffixesExclusive | finance_dashboard/backend/processor.py:31-38 | a name ending in .pdf or .json ends in none of the earlier-tested suffixes |
| Processor.Fields | finance_dashboard/backend/processor.py:81-82 | the records of a list of objects, one per element, in order |
| Processor.JsonObjectsAsRows | finance_dashboard/backend/processor.py:76-85 | a list of objects yields exactly what the same records yield as spreadsheet rows |
| Processor.JsonFirstNonObject | finance_dashboard/backend/processor.py:81-82 | the first element that is not an object raises, whatever follows it |
| Processor.PdfPagesAppend | finance_dashboard/backend/processor.py:66-73 | the pages of two documents yield the two results in turn |
| Processor.BlankPageSkipped | finance_dashboard/backend/processor.py:67-68 | a page with no text or empty text contributes nothing, wherever it stands |
| Processor.FinancialProcessor.Valid | finance_dashboard/backend/processor.py:10-27 | the chart is the one the constructor sets |
| Processor.FinancialProcessor.constructor | finance_dashboard/backend/processor.py:10-27 | the constructor installs the chart of accounts |
| Processor.FinancialProcessor.CategorizeTransaction | finance_dashboard/backend/processor.py:157-164 | the category is the first-match label, always one of the twelve labels |
| Processor.FinancialProcessor.ExtractTransaction | finance_dashboard/backend/processor.py:87-116 | the extractor with this class's parser; without a description key the description is "Unknown" |
| Processor.FinancialProcessor.ProcessRows | finance_dashboard/backend/processor.py:45-50 | the loop over decoded rows returns the filter-map `Rows` |
| Processor.FinancialProcessor.ParsePdfLine | finance_dashboard/backend/processor.py:118-143 | the loop over the patterns returns the specification `ParseLine` |
| Processor.FinancialProcessor.ProcessPdf | finance_dashboard/backend/processor.py:62-74 | the nested page and line loops return `PdfTransactions` |
| Processor.FinancialProcessor.ProcessJson | finance_dashboard/backend/processor.py:76-85 | the loop returns the transactions of a list, nothing for any other document, and raises at the first non-object element |
| Processor.FinancialProcessor.GenerateReports | finance_dashboard/backend/processor.py:166-212 | the reports of the transactions; net income is the sum of all amounts |
| Processor.FinancialProcessor.ProcessFileInMemory | finance_dashboard/backend/processor.py:29-40 | dispatch on the lower-cased suffix returns `FileInMemory` |
| Processor.Advance | finance_dashboard/backend/processor.py:71-73 | appending a line's transaction to the accumulator keeps the inner loop's invariant |
| Processor.LinesStep | finance_dashboard/backend/processor.py:70-73 | a page's lines yield the first line's kept transaction followed by the rest's |
| Processor.PagesStep | finance_dashboard/backend/processor.py:66-73 | the pages yield the first page's transactions followed by the rest's |
| Processor.PageAdvance | finance_dashboard/backend/processor.py:66-73 | appending one page's transactions to the accumulator keeps the outer loop's invariant |
| Processor.JsonStepObject | finance_dashboard/backend/processor.py:81-84 | an object element puts its kept transaction in front of what the rest of the list yields |
| Processor.JsonStepOther | finance_dashboard/backend/processor.py:81-82 | a non-object element raises, whatever follows it |
| Processor.PrefixedDone | finance_dashboard/backend/processor.py:85 | at the end of the list the accumulated transactions are the result |
| Processor.PrefixedEmpty | finance_dashboard/backend/processor.py:79 | an empty accumulator leaves the outcome of the rest unchanged |
| Processor.PrefixedAssoc | finance_dashboard/backend/processor.py:83-84 | prefixing twice is prefixing by the concatenation |

## Left out

- Processor.ParseAmount: a JSON list value on the deciding field is not modelled. In processor.py:147, `pd.isna(value)` runs outside the `try`. For a list it returns an array, and `if` on an array of two or more elements raises `ValueError`, which escapes `process_json` and `process_file_in_memory`. For an empty list the outcome depends on the NumPy version. The model has no list value: the value arrives as its `str()` text, parses to 0 and drops the row. app.py's copy does give 0 for a list, because `float(str(value))` fails inside its `try`. Processor.CopiesAgree therefore says nothing about list values.
- Not-a-number cells: `pd.isna` at processor.py:147 and pandas' NaN rows are not modelled. The `Value` type has no NaN, so an empty spreadsheet cell arrives as `VNone` or as text.
- `float()` is modelled only on an optional sign, digits and an optional fraction. Exponents, `inf`, `nan` and digit-group underscores are left out; such text is treated as rejected.
- Binary floating point is left out: amounts are exact reals, so 0.7, 0.3 and 0.1 multiply exactly, and sums do not round.
- `str.lower()` and `\d` are modelled on ASCII only, because Unicode case mapping and the Unicode digit classes are large tables. Whitespace follows Python's `isspace` set.
- `float(int)` raising `OverflowError` on huge integers is not modelled. Integers convert exactly.
- Record keys are strings. Non-string keys, and `str()` of floats (carried as the text the reader provides), are not modelled.
- The foreign readers are not modelled: `pd.read_csv`, `pd.read_excel`, `pdfplumber`, `page.extract_text`, `json.loads`, UTF-8 decoding and `await file.read()`. Their outcome is a parameter, either what they return or the message of what they raise.
- FastAPI plumbing is not modelled: the app object, CORS middleware, the upload directory, and the `/health`, `/` and `/favicon.ico` endpoints.
- `download_reports`, `create_excel_report` and `generate_summary_text` are not modelled, because they only format and package reports for download.
- The first `/process` route at app.py:19-21 is not modelled. Both `@app.post("/process")` decorators register a route; rebinding the name `process_files` removes neither. The router answers POST /process with the first route registered, and that handler calls a `process_files` method the class does not have, so the request ends in an `AttributeError` (HTTP 500). The model covers the logic of the second handler, app.py:167-204, as written, though at run time that handler is shadowed.
- Regex.MatchAt: the lemmas prove that the matcher finds a match exactly when one exists at a position, and that `re.search` takes the leftmost start. Which of several matches at that start Python's backtracking picks is defined by the matcher's try-order, but no lemma characterises it.
- Processor.FinancialProcessor.ProcessJson: a non-object element is modelled by its type name only, and raises the `AttributeError` message for `.items()`. Nested lists and scalars are not told apart further.
