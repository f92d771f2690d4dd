/** The small part of a pandas DataFrame the pipeline touches: an ordered
    list of column names and a list of rows, each row a mapping from column
    name to cell. Readers that build frames from files are parameters of the
    services that use them. */
module Frames {
  import opened Strings

  /** A cell value; `Missing` is pandas' NaN/None marker. */
  datatype Cell = Missing | Text(s: string) | Number(x: real) | Flag(b: bool)

  type Row = map<string, Cell>

  datatype DataFrame = DataFrame(columns: seq<string>, rows: seq<Row>)

  /** The two readers `_read_dataframe` chooses between. */
  datatype TableReader = ExcelReader | CsvReader

  /** `df.head(n)` for a non-negative `n`: the first rows, same columns. */
  function Head(df: DataFrame, n: nat): (r: DataFrame)
    ensures r.columns == df.columns
    ensures |r.rows| == if n <= |df.rows| then n else |df.rows|
    ensures r.rows == df.rows[..|r.rows|]
  {
    DataFrame(df.columns, Prefix(df.rows, n))
  }

  function FillCell(c: Cell, fill: string): Cell {
    if c.Missing? then Text(fill) else c
  }

  function FillRow(row: Row, fill: string): (r: Row)
    ensures r.Keys == row.Keys
    ensures forall col :: col in row ==> r[col] == FillCell(row[col], fill)
  {
    map col | col in row :: FillCell(row[col], fill)
  }

  /** `df.fillna(fill)`: every missing cell becomes the text `fill`, nothing
      else changes. */
  function FillNa(df: DataFrame, fill: string): (r: DataFrame)
    ensures r.columns == df.columns
    ensures |r.rows| == |df.rows|
    ensures forall k :: 0 <= k < |df.rows| ==> r.rows[k] == FillRow(df.rows[k], fill)
  {
    DataFrame(df.columns, seq(|df.rows|, k requires 0 <= k < |df.rows| => FillRow(df.rows[k], fill)))
  }

  predicate NoMissing(row: Row) {
    forall col :: col in row ==> !row[col].Missing?
  }

  /** `pd.DataFrame(lines, columns=["text"])`: one row per line under the
      single column "text". */
  function TextFrame(lines: seq<string>): (r: DataFrame)
    ensures r.columns == ["text"]
    ensures |r.rows| == |lines|
    ensures forall k :: 0 <= k < |lines| ==> r.rows[k] == map["text" := Text(lines[k])]
  {
    DataFrame(["text"], seq(|lines|, k requires 0 <= k < |lines| => map["text" := Text(lines[k])]))
  }
}
