/** A value that may be missing: a failed read, an unmatched search. */
module Options {
  datatype Option<T> = None | Some(value: T)
}
