/** A result or its absence; an exception of the source is a `None`. */
module Options {
  datatype Option<T> = None | Some(value: T)
}
