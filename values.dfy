/** The values the tool reads out of pandas rows, and what Python makes of them:
    `str(v)`, `bool(v)` (truthiness) and `pd.isna(v)`. A row is `row.get(col)` over a
    dictionary; a frame is the column list plus its rows. */
module Values {
  import opened Text

  /** One cell, by the Python type the code tests for with `isinstance`. */
  datatype Value =
    | VNone                               // None
    | VBool(b: bool)                      // bool
    | VInt(i: int)                        // int
    | VFloat(repr: string)                // float, by its str(): "1.5", "0.0", "nan"
    | VStr(s: string)                     // str
    | VList(items: seq<Value>)            // list (a JSON array read from a JSON source)
    | VOther(repr: string, truthy: bool)  // anything else (Timestamp, NaT, Decimal, ...): its str() and bool()

  /** `str(v)` */
  function Str(v: Value): string
    decreases v, 1
  {
    match v
    case VNone => "None"
    case VBool(b) => if b then "True" else "False"
    case VInt(i) => IntToString(i)
    case VFloat(r) => r
    case VStr(s) => s
    case VList(items) =>
      "[" + Join(", ", seq(|items|, k requires 0 <= k < |items| => assert items[k] < v; Repr(items[k]))) + "]"
    case VOther(r, _) => r
  }

  /** `repr(v)` as it appears inside a list's str(): strings are quoted (escapes are not modelled). */
  function Repr(v: Value): string
    decreases v, 2
  {
    if v.VStr? then "'" + v.s + "'" else Str(v)
  }

  /** `bool(v)`: what `if v:` and `v or w` test. */
  predicate Truthy(v: Value)
  {
    match v
    case VNone => false
    case VBool(b) => b
    case VInt(i) => i != 0
    case VFloat(r) => r != "0.0" && r != "-0.0"
    case VStr(s) => s != ""
    case VList(items) => items != []
    case VOther(_, t) => t
  }

  /** `pd.isna(v)`, which `dropna()` removes: None, a float NaN, NaT. */
  predicate IsNA(v: Value)
  {
    v.VNone? || (v.VFloat? && v.repr == "nan") || (v.VOther? && v.repr == "NaT")
  }

  /** A row: column name to cell. */
  type Row = map<string, Value>

  /** `row.get(col)`: None for a missing column. */
  function Get(row: Row, col: string): Value
  {
    if col in row then row[col] else VNone
  }

  /** Python's `a or b`: the first operand when it is truthy, otherwise the second. */
  function PyOr(a: Value, b: Value): Value
  {
    if Truthy(a) then a else b
  }

  /** A DataFrame: its columns in order and its rows. */
  datatype Frame = Frame(columns: seq<string>, rows: seq<Row>)

  /** `df.empty`: no rows or no columns. */
  predicate FrameEmpty(f: Frame)
  {
    |f.rows| == 0 || |f.columns| == 0
  }

  /** A metadata value as stored in the vector index: scalar only. */
  datatype Meta = MStr(s: string) | MInt(i: int) | MFloat(repr: string) | MBool(b: bool)
}
