/** A value that may be absent: models a JavaScript `T | null` (or `undefined`). */
module Optional {
  datatype Option<+T> = None | Some(value: T)
}
