/** Small shared definitions: an optional value. */
module Common {

  /** A value that may be missing: Java's `null`, a failed read, an unparsable argument. */
  datatype Option<+T> = None | Some(value: T)
}
