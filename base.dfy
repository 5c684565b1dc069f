/** Option and Result, and the named failures the tool raises. */
module Base {

  datatype Option<+T> = None | Some(value: T) {
    function GetOr(default: T): T {
      match this
      case Some(v) => v
      case None => default
    }
  }

  /** Every exception the modelled code raises, with the data its message names. */
  datatype Error =
    // engine.load_data
    | UnsupportedFormat(filename: string)
      // engine.unpivot_data
    | AmbiguousUnpivotSpec
    | ColumnIndexOutOfRange(columnCount: nat)
    | StartNotBeforeEnd
      // raised by the dataframe library on a bad column reference or a clash of names
    | ColumnNotFound(name: string)
    | DuplicateColumn(name: string)
    | InvalidOperation(column: string)
      // Python and graph-library failures inside the renderer
    | KeyError(key: string)
    | NoneNode
    | IndexError
    | UnexpectedKeyword(keyword: string)
    | UnsupportedChartType(raw: string)
      // graphs.factory.get_renderer
    | UnknownRenderer(name: string, available: seq<string>)
      // typer.BadParameter raised by the command line
    | InvalidFilterFormat(expr: string)
    | InvalidExcludeFormat(expr: string)
    | MissingLookupOptions
    | UnsupportedOutputFormat(suffix: string)
      // a failure inside an operation this model treats as external (file parsing and the like)
    | External(message: string)

  datatype Result<+T> = Ok(value: T) | Err(error: Error)
}
