/** An optional value, for lookups that can miss and scans that can fail. */
module Options {

  datatype Option<+T> = None | Some(value: T)
}
