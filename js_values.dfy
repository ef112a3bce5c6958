/** The JavaScript values the chat front-ends pass around: optional and failing
    results, thrown errors, and the cells of a query result row. */
module JsValues {

  datatype Option<T> = None | Some(value: T)

  /** The outcome of an async call: a resolved value or a rejection. */
  datatype Result<T, E> = Ok(value: T) | Err(error: E)

  /** The built-in Error classes the services distinguish with `instanceof`. */
  datatype ErrorClass = PlainError | TypeError | SyntaxError

  /** A thrown value: an Error instance (of some class, with its message) or any
      other value, given by its String(...) conversion. */
  datatype Thrown = Raised(kind: ErrorClass, message: string) | NonError(text: string)

  /** `err instanceof Error ? err.message : String(err)` */
  function Describe(e: Thrown): string {
    match e
    case Raised(_, message) => message
    case NonError(text) => text
  }

  /** A string value is truthy exactly when it is present and not "". */
  predicate Truthy(v: Option<string>) {
    v.Some? && v.value != ""
  }

  /** A cell of a result row: a value in its string form, or null. */
  datatype Value = Text(text: string) | Null

  /** A result row: column name to value; a column the row lacks reads as undefined. */
  type Row = map<string, Value>

  /** `row[col]` as Array.prototype.join writes it: null and undefined become "". */
  function CellText(row: Row, col: string): string {
    if col in row && row[col].Text? then row[col].text else ""
  }
}
