/** The dataframe as the tool sees it: uniquely named, typed columns and rows of cells. */
module Tables {
  import opened Lists

  datatype Cell = Null | IntCell(i: int) | FloatCell(f: real) | StrCell(s: string) | BoolCell(b: bool)

  datatype DType = Int64 | Float64 | Utf8 | Boolean | OtherType(name: string)

  datatype Column = Column(name: string, dtype: DType)

  type Row = seq<Cell>

  datatype Table = Table(columns: seq<Column>, rows: seq<Row>)

  function Names(cols: seq<Column>): (r: seq<string>)
    ensures |r| == |cols|
    ensures forall i :: 0 <= i < |cols| ==> r[i] == cols[i].name
  {
    seq(|cols|, i requires 0 <= i < |cols| => cols[i].name)
  }

  /** Whether a cell can sit in a column of the given type; an untyped column takes anything. */
  predicate Fits(c: Cell, d: DType) {
    match c
    case Null => true
    case IntCell(_) => d == Int64 || d.OtherType?
    case FloatCell(_) => d == Float64 || d.OtherType?
    case StrCell(_) => d == Utf8 || d.OtherType?
    case BoolCell(_) => d == Boolean || d.OtherType?
  }

  /** Column names are unique and every row has one cell of the right type per column. */
  predicate WellFormed(t: Table) {
    && Distinct(Names(t.columns))
    && forall i :: 0 <= i < |t.rows| ==> RowFits(t.rows[i], t.columns)
  }

  /** One cell per column, each of the column's type. */
  predicate RowFits(r: Row, cols: seq<Column>) {
    |r| == |cols| && forall k :: 0 <= k < |r| ==> Fits(r[k], cols[k].dtype)
  }

  /** Cells that fit their columns still fit when rows and columns are extended alike. */
  lemma RowFitsAppend(r: Row, cols: seq<Column>, r2: Row, cols2: seq<Column>)
    requires RowFits(r, cols) && RowFits(r2, cols2)
    ensures RowFits(r + r2, cols + cols2)
  {
    forall k | 0 <= k < |r + r2| ensures Fits((r + r2)[k], (cols + cols2)[k].dtype) {
      if k >= |r| {
        assert (r + r2)[k] == r2[k - |r|] && (cols + cols2)[k] == cols2[k - |r|];
      }
    }
  }

  function TypeOf(cols: seq<Column>, name: string): DType
    requires name in Names(cols)
  {
    cols[IndexOf(Names(cols), name)].dtype
  }

  /** The cell of `row` under the column called `name`. */
  function At(t: Table, row: Row, name: string): Cell
    requires name in Names(t.columns) && |row| == |t.columns|
  {
    row[IndexOf(Names(t.columns), name)]
  }
}
