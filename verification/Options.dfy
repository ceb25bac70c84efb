/** The stock option type shared by every module. */
module Options {
  datatype Option<+T> = None | Some(value: T)
}
