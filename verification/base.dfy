/** Shared wrappers: optional cells and the Python exceptions the modelled
    code can raise when a table does not have the shape it expects. */
module Base {

  /** A table cell or an optional value: `None` stands for pandas' NaN/None. */
  datatype Option<T> = None | Some(value: T)

  /** The exceptions the dashboard code lets escape on a malformed table. */
  datatype Error =
    | KeyError(column: string)   // `df[col]` on a column the table lacks
    | IndexError                 // a range filter with fewer than two bounds

  /** The outcome of a Python function that may raise instead of returning. */
  datatype Outcome<T> = Ok(value: T) | Raised(error: Error)
}
