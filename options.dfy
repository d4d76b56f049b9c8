/** A value that may be missing: a table cell that holds NaN, or a parse that failed. */
module Options {

  datatype Option<+T> = None | Some(value: T)
}
