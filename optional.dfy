/** A value that may be absent: JavaScript's `undefined` / `null` for an optional field or state. */
module Optional {
  datatype Option<+T> = None | Some(value: T)
}
