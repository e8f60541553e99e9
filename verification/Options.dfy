module Options {
  /** A value a store may not hold. */
  datatype Option<+T> = None | Some(value: T)
}
