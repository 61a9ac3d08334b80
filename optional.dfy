/** Java's nullable references, as a value that is either absent or present. */
module Optional {

  /** `None` stands for a Java `null`; `Some(v)` for a non-null reference to `v`. */
  datatype Option<+T> = None | Some(value: T)
}
