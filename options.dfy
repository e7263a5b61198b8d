/** The Some/None wrapper used for operations of the source that raise on bad input. */
module Options {

  datatype Option<+T> = None | Some(value: T)
}
