/**
 * The data the pipeline passes around: raw cell values, raw records (one
 * decoded row or JSON object), canonical transactions, and what the
 * foreign decoders make of an uploaded file.
 */
module Values {
  import opened Wrappers
  import Decimal

  /**
   * A raw cell value. `VFloat` carries the number and the text Python's
   * `str()` gives for it; every other object (a timestamp, say) is a
   * `VStr` holding its `str()` text. Lists are not values here: processor.py's
   * `pd.isna` check raises on some of them, and that raise is not modelled.
   */
  datatype Value =
    | VNone
    | VBool(b: bool)
    | VInt(i: int)
    | VFloat(x: real, text: string)
    | VStr(s: string)

  /** A raw record: the (key, value) pairs of a row dict, in iteration order. */
  type Field = (string, Value)
  type Record = seq<Field>

  /** Python's `str(value)`. */
  function Str(v: Value): string {
    match v
    case VNone => "None"
    case VBool(b) => if b then "True" else "False"
    case VInt(i) => Decimal.IntToString(i)
    case VFloat(_, text) => text
    case VStr(s) => s
  }

  datatype Kind = Income | Expense

  /** A transaction dict: date, description, amount, category and type. */
  datatype Transaction = Transaction(
    date: string,
    description: string,
    amount: real,
    category: string,
    kind: Kind)

  /** `'income' if amount > 0 else 'expense'`. */
  function KindOf(amount: real): (k: Kind)
    ensures k == Income <==> amount > 0.0
  {
    if amount > 0.0 then Income else Expense
  }

  /** One element of a decoded JSON document's top-level list. */
  datatype JsonItem = JObject(fields: Record) | JOther(typeName: string)

  /** A decoded JSON document: a top-level list, or any other JSON value. */
  datatype JsonDoc = JList(items: seq<JsonItem>) | JNotList

  /**
   * An uploaded file as the foreign readers see it: what `pd.read_csv`,
   * `pd.read_excel`, `pdfplumber` (each page's `extract_text()`) and
   * `json.loads` return on its bytes, or the message of what they raise.
   */
  datatype Content = Content(
    csv: Result<seq<Record>>,
    excel: Result<seq<Record>>,
    pdf: Result<seq<Option<string>>>,
    json: Result<JsonDoc>)
}
