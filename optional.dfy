/** A value that may be absent: an optional field of a record, a key that is
    not in the store, a number that did not parse. */
module Optional {
  datatype Option<T> = None | Some(value: T)
}
