/**
 * A spreadsheet as pandas loads it: a set of column names and rows that map
 * every column to a cell. A cell is either missing (NaN) or the text that
 * `str()` gives for its value.
 */
module Sheet {
  import opened Wrappers

  /** The columns the label tool reads; the FSSAI column is spelled "FSAAI" where it is read. */
  const NameColumn: string := "Name"
  const WeightColumn: string := "Net Weight"
  const PriceColumn: string := "M.R.P"
  const FssaiColumn: string := "M.F.G. FSAAI"

  datatype Cell = Null | Text(text: string)

  type Row = map<string, Cell>

  datatype Frame = Frame(columns: set<string>, rows: seq<Row>)

  /** Every row has exactly the frame's columns. */
  predicate WellFormed(f: Frame) {
    forall i :: 0 <= i < |f.rows| ==> f.rows[i].Keys == f.columns
  }

  /** Indexing a row or a frame by a column it lacks raises `KeyError`. */
  datatype LookupError = KeyError(column: string)

  /** `row[column]`. */
  function Lookup(row: Row, column: string): (r: Result<Cell, LookupError>)
    ensures r.Ok? <==> column in row
    ensures r.Ok? ==> r.value == row[column]
    ensures r.Err? ==> r.error == KeyError(column)
  {
    if column in row then Ok(row[column]) else Err(KeyError(column))
  }

  /** `str(cell)`: a missing value prints as "nan". */
  function CellText(c: Cell): (s: string)
    ensures c.Text? ==> s == c.text
  {
    match c
    case Null => "nan"
    case Text(t) => t
  }

  /** Element-wise `==` of pandas: a missing value equals nothing, itself included. */
  predicate CellEq(a: Cell, b: Cell) {
    a.Text? && b.Text? && a.text == b.text
  }
}
