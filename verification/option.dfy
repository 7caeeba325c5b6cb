/** An optional value, for lookups and conversions that can fail. */
module Options {
  datatype Option<+T> = None | Some(value: T)
}
