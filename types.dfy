/** src/graphs/types.py: the chart kinds and export formats shared by renderers and the CLI. */
module GraphTypes {
  import opened Base

  datatype ChartType = Bar | Line | Scatter | Histogram | Pie

  datatype ExportFormat = Html | Png | Pdf | Svg

  /** The enum value of each chart type. */
  function ChartValue(c: ChartType): string {
    match c
    case Bar => "bar"
    case Line => "line"
    case Scatter => "scatter"
    case Histogram => "histogram"
    case Pie => "pie"
  }

  /** `ChartType(value)`: the member with that value, if any. */
  function ChartTypeOf(value: string): (r: Option<ChartType>)
    ensures r.Some? ==> ChartValue(r.value) == value
    ensures r.None? ==> forall c: ChartType :: ChartValue(c) != value
  {
    if value == "bar" then Some(Bar)
    else if value == "line" then Some(Line)
    else if value == "scatter" then Some(Scatter)
    else if value == "histogram" then Some(Histogram)
    else if value == "pie" then Some(Pie)
    else None
  }

  /** Every chart type is recovered from its value. */
  lemma ChartTypeRoundTrip(c: ChartType)
    ensures ChartTypeOf(ChartValue(c)) == Some(c)
  {
  }

  /** The enum value of each export format. */
  function FormatValue(f: ExportFormat): string {
    match f
    case Html => "html"
    case Png => "png"
    case Pdf => "pdf"
    case Svg => "svg"
  }
}
