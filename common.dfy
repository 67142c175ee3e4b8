/** Shared result types for the SeismicGuard model. */
module Common {

  datatype Option<+T> = None | Some(value: T)

  /** The Python exceptions that escape the modelled code and abort the
      current run of the dashboard script. */
  datatype PyError =
    | MissingColumn(column: string)   // a column that is not there: KeyError from `df[column]` or
                                      // `row[column]`, or plotly's ValueError for a column argument
    | EmptyArgMax                     // ValueError from `argmax` of an empty column
    | UnreadableFile                  // `pd.read_csv` raised
    | NotIterable                     // TypeError from `"@" in x` when x is NaN
    | InvalidMarkerSize               // plotly's ValueError for a negative marker size

  /** A value, or the exception that was raised instead. */
  datatype Outcome<+T> = Ok(value: T) | Raised(error: PyError)
}
