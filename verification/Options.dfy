/** A value that may be missing: a Python None, a PHP null, a row that is not found. */
module Options {

  datatype Option<T> = None | Some(value: T)
}
