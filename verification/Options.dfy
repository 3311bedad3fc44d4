/** A value that may be missing, for the errors and absent fields of the programs. */
module Options {
  datatype Option<+T> = None | Some(value: T)
}
