/**
 * The workbook as the loader sees it once it has been parsed: a sequence of
 * named sheets, each a header row and data rows of cells. The pandas value
 * conversions the model does not interpret are supplied as `Conversions`.
 */
module Sheets {
  import opened Wrappers
  import opened Strings

  /** A spreadsheet cell: blank (NaN once read), a number, or text. */
  datatype Cell = Empty | Num(v: real) | Text(s: string)

  /** A sheet read with `header=0`: the first row names the columns. */
  datatype Sheet = Sheet(name: string, header: seq<Cell>, rows: seq<seq<Cell>>)

  type Workbook = seq<Sheet>

  /** A calendar date (`.dt.date`) and a timestamp (`pd.to_datetime`), kept opaque. */
  datatype Date = Date(day: int)
  datatype Time = Time(instant: int)

  /**
   * The conversions whose behaviour belongs to pandas: `to_datetime` with
   * `errors='coerce'` (None is NaT) for dates and for timestamps, and `str()`
   * of a numeric cell.
   */
  datatype Conversions = Conversions(
    toDate: Cell -> Option<Date>,
    toTime: Cell -> Option<Time>,
    numText: real -> string)

  /** The length of the longest row (0 for no rows). */
  function MaxLen(rows: seq<seq<Cell>>): (n: nat)
    ensures forall k :: 0 <= k < |rows| ==> |rows[k]| <= n
  {
    if rows == [] then 0
    else
      var m := MaxLen(rows[..|rows| - 1]);
      if |rows[|rows| - 1]| > m then |rows[|rows| - 1]| else m
  }

  lemma {:induction false} MaxLenBound(rows: seq<seq<Cell>>, m: nat)
    requires forall k :: 0 <= k < |rows| ==> |rows[k]| <= m
    ensures MaxLen(rows) <= m
    decreases |rows|
  {
    if rows != [] {
      MaxLenBound(rows[..|rows| - 1], m);
    }
  }

  /** Number of columns: the reader pads every row, header included, to the widest one. */
  function Width(sh: Sheet): nat {
    var m := MaxLen(sh.rows);
    if |sh.header| > m then |sh.header| else m
  }

  /** The cell in column `j`; cells a row does not reach are blank. */
  function At(row: seq<Cell>, j: nat): Cell {
    if j < |row| then row[j] else Empty
  }

  /** `pd.to_numeric(cell, errors='coerce')`; None is NaN. */
  function ToNumeric(c: Cell): Option<real> {
    match c
    case Empty => None
    case Num(v) => Some(v)
    case Text(s) => ParseDecimal(s)
  }

  /** `pd.to_numeric(..., errors='coerce').fillna(0)`: never fails, 0 for anything that is not a number. */
  function Coerce(c: Cell): real {
    ToNumeric(c).GetOr(0.0)
  }

  /** `str()` of a cell value: NaN prints as "nan". */
  function Show(c: Cell, conv: Conversions): string {
    match c
    case Empty => "nan"
    case Num(v) => conv.numText(v)
    case Text(s) => s
  }

  /** The column name pandas gives header cell `j`: "Unnamed: j" when it is blank. */
  function HeaderName(c: Cell, j: nat, conv: Conversions): string {
    if c.Empty? then "Unnamed: " + Digits(j) else Show(c, conv)
  }

  /** Coercion: a number is kept, a blank cell or text that is no number becomes 0. */
  lemma CoerceSpec(c: Cell)
    ensures c.Num? ==> Coerce(c) == c.v
    ensures c.Empty? ==> Coerce(c) == 0.0
    ensures c.Text? && (exists k :: 0 <= k < |c.s| && !IsNumeral(c.s[k])) ==> Coerce(c) == 0.0
  {
    if c.Text? && ParseDecimal(c.s).Some? {
      ParsedTextIsNumeral(c.s);
    }
  }
}
